/**
 * `src/services/users.service.js`: the two validators, the e-mail
 * uniqueness guards in front of create and update, the search by name, and
 * the login check. `bcrypt.compare` is a parameter `verify`; a hash of
 * the password it accepts is whatever `hash` gives (the same parameter the
 * model hashes with).
 */
module UsersService {
  import opened Json
  import opened Validation
  import opened Formats
  import opened Store
  import opened Lookup
  import opened Documents
  import opened Search
  import opened Lists
  import Model = UsersModel

  const NotFoundMessage := "Usuario no encontrado"
  const NoMatchMessage := "No se encontraron usuarios con ese nombre"
  const EmailTakenMessage := "El email ya está registrado"
  const EmailTakenByOtherMessage := "El email ya está registrado por otro usuario"
  const BadCredentialsMessage := "Credenciales inválidas"
  const DisabledMessage := "La cuenta está desactivada"
  const NothingMessage := "Debes proporcionar al menos un campo para actualizar el usuario."
  const Roles := ["user", "admin"]

  // ---------------------------------------------------------------------
  // The checks both validators share the layout of

  /**
   * Which checks of a validator failed, one flag per `if` block. The date
   * of birth has an `if / else` pair on create (its shape is only checked on
   * a non-empty string) and one block on update; the role is checked on
   * update only.
   */
  datatype UserFailures = UserFailures(
    fullName: bool, dateMissing: bool, dateShape: bool, email: bool, password: bool,
    accountEnabled: bool, phone: bool, address: bool, role: bool)

  function UserTable(f: UserFailures): seq<Rule> {
    [Rule(f.fullName, BadField(FullName)), Rule(f.dateMissing, BadField(DateOfBirth)),
     Rule(f.dateShape, BadShape(DateOfBirth)), Rule(f.email, BadField(Email)),
     Rule(f.password, BadField(Password)), Rule(f.accountEnabled, BadField(AccountEnabled)),
     Rule(f.phone, BadField(Phone)), Rule(f.address, BadField(Address)), Rule(f.role, BadField(Role))]
  }

  /** Each message is pushed exactly when its check failed: the identity fields, */
  lemma UserTableIdentity(f: UserFailures)
    ensures BadField(FullName) in Fired(UserTable(f)) <==> f.fullName
    ensures BadField(DateOfBirth) in Fired(UserTable(f)) <==> f.dateMissing
    ensures BadShape(DateOfBirth) in Fired(UserTable(f)) <==> f.dateShape
  {
    FiredAt(UserTable(f), 0);
    FiredAt(UserTable(f), 1);
    FiredAt(UserTable(f), 2);
  }

  /** the credentials, */
  lemma UserTableCredentials(f: UserFailures)
    ensures BadField(Email) in Fired(UserTable(f)) <==> f.email
    ensures BadField(Password) in Fired(UserTable(f)) <==> f.password
    ensures BadField(Role) in Fired(UserTable(f)) <==> f.role
  {
    FiredAt(UserTable(f), 3);
    FiredAt(UserTable(f), 4);
    FiredAt(UserTable(f), 8);
  }

  /** and the optional fields. */
  lemma UserTableOptional(f: UserFailures)
    ensures BadField(AccountEnabled) in Fired(UserTable(f)) <==> f.accountEnabled
    ensures BadField(Phone) in Fired(UserTable(f)) <==> f.phone
    ensures BadField(Address) in Fired(UserTable(f)) <==> f.address
  {
    FiredAt(UserTable(f), 5);
    FiredAt(UserTable(f), 6);
    FiredAt(UserTable(f), 7);
  }

  /** No message at all exactly when no check failed. */
  lemma UserTableEmpty(f: UserFailures)
    ensures Fired(UserTable(f)) == [] <==>
      !f.fullName && !f.dateMissing && !f.dateShape && !f.email && !f.password
      && !f.accountEnabled && !f.phone && !f.address && !f.role
  {
    FiredNone(UserTable(f));
  }

  // ---------------------------------------------------------------------
  // validateUserData

  /** A non-empty string that is not of the DD-MM-YY shape: the `else` branch of the date check. */
  predicate DateMisshapen(v: JVal) {
    NonEmptyString(v) && !DateShape(v.s)
  }

  /** The checks of `validateUserData` on the fields it reads; `role` is not checked (its block is commented out). */
  function CheckUser(fullName: JVal, dateOfBirth: JVal, email: JVal, password: JVal,
                     accountEnabled: JVal, phone: JVal, address: JVal): UserFailures {
    UserFailures(!TrimmedAtLeast(fullName, 1), !NonEmptyString(dateOfBirth), DateMisshapen(dateOfBirth),
                 !EmailString(email), !TrimmedAtLeast(password, 6),
                 !BooleanIfPresent(accountEnabled), !StringIfPresent(phone), !StringIfPresent(address), false)
  }

  function UserDataFailures(data: JVal): UserFailures {
    CheckUser(Get(data, "fullName"), Get(data, "dateOfBirth"), Get(data, "email"), Get(data, "password"),
              Get(data, "accountEnabled"), Get(data, "phone"), Get(data, "address"))
  }

  /** The errors `validateUserData` pushes, in order. */
  function UserIssues(data: JVal): seq<Issue> {
    if !Truthy(data) then [NoData] else Fired(UserTable(UserDataFailures(data)))
  }

  method ValidateUserData(data: JVal) returns (v: Verdict)
    ensures v == Checked(UserIssues(data))
  {
    var errors: seq<Issue> := [];
    if !Truthy(data) {
      errors := errors + [NoData];
      return Checked(errors);
    }
    var fullName, dateOfBirth := Get(data, "fullName"), Get(data, "dateOfBirth");
    var email, password := Get(data, "email"), Get(data, "password");
    var accountEnabled, phone, address := Get(data, "accountEnabled"), Get(data, "phone"), Get(data, "address");
    var f := CheckUser(fullName, dateOfBirth, email, password, accountEnabled, phone, address);
    assert f == UserDataFailures(data);
    errors := PushBroken(errors, UserTable(f));
    return Checked(errors);
  }

  /**
   * What a new user must be: a non-blank full name, a DD-MM-YY date of
   * birth, an address of the form x@y.z, a password of at least 6
   * characters after trimming, and, when given, a boolean `accountEnabled`
   * and string phone and address.
   */
  predicate UserAcceptable(data: JVal) {
    Truthy(data)
    && TrimmedAtLeast(Get(data, "fullName"), 1)
    && DateString(Get(data, "dateOfBirth"))
    && EmailString(Get(data, "email"))
    && TrimmedAtLeast(Get(data, "password"), 6)
    && BooleanIfPresent(Get(data, "accountEnabled"))
    && StringIfPresent(Get(data, "phone"))
    && StringIfPresent(Get(data, "address"))
  }

  lemma UserDataValidIff(data: JVal)
    ensures Checked(UserIssues(data)).valid <==> UserAcceptable(data)
  {
    if Truthy(data) {
      UserTableEmpty(UserDataFailures(data));
    }
  }

  /** Missing data is reported alone. */
  lemma NoUserData(data: JVal)
    requires !Truthy(data)
    ensures Checked(UserIssues(data)) == Verdict(false, [NoData])
  {
  }

  /** The full name, the e-mail and the password are required and checked. */
  lemma RequiredFieldsReported(data: JVal)
    requires Truthy(data)
    ensures BadField(FullName) in UserIssues(data) <==> !TrimmedAtLeast(Get(data, "fullName"), 1)
    ensures BadField(Email) in UserIssues(data) <==> !EmailString(Get(data, "email"))
    ensures BadField(Password) in UserIssues(data) <==> !TrimmedAtLeast(Get(data, "password"), 6)
  {
    var f := UserDataFailures(data);
    UserTableIdentity(f);
    UserTableCredentials(f);
  }

  /** A missing or empty date of birth gets the first message; a non-empty string of the wrong shape the second; never both. */
  lemma DateOfBirthReported(data: JVal)
    requires Truthy(data)
    ensures BadField(DateOfBirth) in UserIssues(data) <==> !NonEmptyString(Get(data, "dateOfBirth"))
    ensures BadShape(DateOfBirth) in UserIssues(data) <==>
      NonEmptyString(Get(data, "dateOfBirth")) && !DateShape(Get(data, "dateOfBirth").s)
    ensures !(BadField(DateOfBirth) in UserIssues(data) && BadShape(DateOfBirth) in UserIssues(data))
  {
    UserTableIdentity(UserDataFailures(data));
  }

  /** The optional fields are reported only when given with the wrong type, and the role is never looked at. */
  lemma OptionalFieldsReported(data: JVal)
    requires Truthy(data)
    ensures BadField(AccountEnabled) in UserIssues(data) <==> !BooleanIfPresent(Get(data, "accountEnabled"))
    ensures BadField(Phone) in UserIssues(data) <==> !StringIfPresent(Get(data, "phone"))
    ensures BadField(Address) in UserIssues(data) <==> !StringIfPresent(Get(data, "address"))
    ensures BadField(Role) !in UserIssues(data)
  {
    var f := UserDataFailures(data);
    UserTableOptional(f);
    UserTableCredentials(f);
  }

  /** An accepted e-mail has no white space and exactly one '@'. */
  lemma AcceptedEmailHasOneAt(data: JVal)
    requires UserAcceptable(data)
    ensures var s := Get(data, "email").s;
      (forall i :: 0 <= i < |s| ==> !IsWhitespace(s[i]))
      && exists k :: 0 <= k < |s| && s[k] == '@' && forall i :: 0 <= i < |s| && s[i] == '@' ==> i == k
  {
    EmailShapeHasOneAt(Get(data, "email").s);
  }

  // ---------------------------------------------------------------------
  // validateUserUpdateData

  /** None of the eight fields is `undefined`-free: nothing to update. */
  predicate NothingSupplied(data: JVal) {
    Get(data, "fullName").Undef? && Get(data, "dateOfBirth").Undef? && Get(data, "email").Undef?
    && Get(data, "password").Undef? && Get(data, "accountEnabled").Undef? && Get(data, "phone").Undef?
    && Get(data, "address").Undef? && Get(data, "role").Undef?
  }

  /** The checks of `validateUserUpdateData`: each field only when it is not `undefined`. */
  function CheckUpdate(fullName: JVal, dateOfBirth: JVal, email: JVal, password: JVal,
                       accountEnabled: JVal, phone: JVal, address: JVal, role: JVal): UserFailures {
    UserFailures(!TrimmedIfPresent(fullName, 1), !DateIfPresent(dateOfBirth), false,
                 !EmailIfPresent(email), !TrimmedIfPresent(password, 6),
                 !BooleanIfPresent(accountEnabled), !StringIfPresent(phone), !StringIfPresent(address),
                 !OneOfIfPresent(role, Roles))
  }

  function UpdateDataFailures(data: JVal): UserFailures {
    CheckUpdate(Get(data, "fullName"), Get(data, "dateOfBirth"), Get(data, "email"), Get(data, "password"),
                Get(data, "accountEnabled"), Get(data, "phone"), Get(data, "address"), Get(data, "role"))
  }

  function UpdateIssues(data: JVal): seq<Issue> {
    Fired(UserTable(UpdateDataFailures(data)))
  }

  /**
   * The answer of `validateUserUpdateData`: destructuring null or
   * undefined throws; any other value destructures (a primitive has none
   * of the fields); then the message, or the checked list.
   */
  function UpdateVerdict(data: JVal): Verdict {
    if IsNullish(data) then Crash(TypeErrorText)
    else if NothingSupplied(data) then NothingToUpdate(NothingMessage)
    else Checked(UpdateIssues(data))
  }

  method ValidateUserUpdateData(data: JVal) returns (v: Verdict)
    ensures v == UpdateVerdict(data)
  {
    if IsNullish(data) {
      return Crash(TypeErrorText);
    }
    var fullName, dateOfBirth, email, password := Get(data, "fullName"), Get(data, "dateOfBirth"), Get(data, "email"), Get(data, "password");
    var accountEnabled, phone, address, role := Get(data, "accountEnabled"), Get(data, "phone"), Get(data, "address"), Get(data, "role");
    var errors: seq<Issue> := [];
    if NothingSupplied(data) {
      return NothingToUpdate(NothingMessage);
    }
    var f := CheckUpdate(fullName, dateOfBirth, email, password, accountEnabled, phone, address, role);
    assert f == UpdateDataFailures(data);
    errors := PushBroken(errors, UserTable(f));
    return Checked(errors);
  }

  /** What an update may be once something was supplied: every field that is not `undefined` passes its rule. */
  predicate UpdateAcceptable(data: JVal) {
    TrimmedIfPresent(Get(data, "fullName"), 1)
    && DateIfPresent(Get(data, "dateOfBirth"))
    && EmailIfPresent(Get(data, "email"))
    && TrimmedIfPresent(Get(data, "password"), 6)
    && BooleanIfPresent(Get(data, "accountEnabled"))
    && StringIfPresent(Get(data, "phone"))
    && StringIfPresent(Get(data, "address"))
    && OneOfIfPresent(Get(data, "role"), Roles)
  }

  lemma UpdateDataValidIff(data: JVal)
    requires !IsNullish(data) && !NothingSupplied(data)
    ensures UpdateVerdict(data).Verdict? && (UpdateVerdict(data).valid <==> UpdateAcceptable(data))
  {
    UserTableEmpty(UpdateDataFailures(data));
  }

  /** Null or undefined throws instead of answering. */
  lemma NullishUpdateThrows(data: JVal)
    requires IsNullish(data)
    ensures UpdateVerdict(data) == Crash(TypeErrorText)
  {
  }

  /** With none of the eight fields the answer is the message, with no list of errors; a primitive always gets it. */
  lemma NothingSuppliedGivesMessage(data: JVal)
    requires !IsNullish(data) && (NothingSupplied(data) || !data.Obj?)
    ensures UpdateVerdict(data) == NothingToUpdate(NothingMessage)
  {
  }

  /** A present role must be "user" or "admin"; a supplied field is held to its rule, an absent one is not reported. */
  lemma UpdateFieldsReported(data: JVal)
    ensures BadField(Role) in UpdateIssues(data) <==>
      Present(Get(data, "role")) && !(Get(data, "role") == Str("user") || Get(data, "role") == Str("admin"))
    ensures BadField(Email) in UpdateIssues(data) <==> Present(Get(data, "email")) && !EmailString(Get(data, "email"))
    ensures BadField(Password) in UpdateIssues(data) <==>
      Present(Get(data, "password")) && !TrimmedAtLeast(Get(data, "password"), 6)
    ensures BadField(DateOfBirth) in UpdateIssues(data) <==>
      Present(Get(data, "dateOfBirth")) && !DateString(Get(data, "dateOfBirth"))
    ensures BadShape(DateOfBirth) !in UpdateIssues(data)
  {
    var f := UpdateDataFailures(data);
    UserTableCredentials(f);
    UserTableIdentity(f);
  }

  /** A new user's data with an allowed role (or none) may also be sent as an update. */
  lemma CreateAcceptableIsUpdateAcceptable(data: JVal)
    requires UserAcceptable(data) && OneOfIfPresent(Get(data, "role"), Roles)
    ensures UpdateAcceptable(data)
  {
  }

  // ---------------------------------------------------------------------
  // The guarded reads and writes

  /** What `model.getAllUsers()` lists. */
  function UsersOf(docs: seq<Doc>, available: bool): seq<JVal> {
    if available then Listing(docs) else []
  }

  /** `getUserById`: the model's answer, with a miss turned into the "not found" exception. */
  method GetUserById(c: Collection, id: string) returns (r: Outcome<JVal>)
    requires c.name == Model.CollectionName
    ensures ByKey(c.docs, c.available, id) == Null ==> r == Throw(NotFoundMessage)
    ensures ByKey(c.docs, c.available, id) != Null ==> r == Return(Obj(WithId(PathOf(id), DataAt(c.docs, PathOf(id)))))
  {
    var user := Model.GetUserById(c, id);
    if !Truthy(user) {
      return Throw(NotFoundMessage);
    }
    r := Return(user);
  }

  /** `getUserByEmail`: the first user holding exactly that e-mail, or the "not found" exception. */
  method GetUserByEmail(c: Collection, email: JVal) returns (r: Outcome<JVal>)
    requires c.name == Model.CollectionName
    ensures var users := UsersOf(c.docs, c.available);
      if forall i :: 0 <= i < |users| ==> !Model.EmailIs(users[i], email) then r == Throw(NotFoundMessage)
      else r.Return? && r.value in users && Model.EmailIs(r.value, email) && r.value == Model.UserWithEmail(users, email)
  {
    var user := Model.GetUserByEmail(c, email);
    HolderFound(UsersOf(c.docs, c.available), email);
    if !Truthy(user) {
      return Throw(NotFoundMessage);
    }
    r := Return(user);
  }

  /** `searchUserByName` searches the `name` field, which no stored user has (create writes `fullName`). */
  method SearchUserByName(c: Collection, name: JVal) returns (r: Outcome<seq<JVal>>)
    requires c.name == Model.CollectionName
    ensures r == SearchBy(UsersOf(c.docs, c.available), "name", name, NoMatchMessage)
  {
    var users := Model.GetAllUsers(c);
    r := SearchBy(users, "name", name, NoMatchMessage);
  }

  /**
   * `createUser`: reading `data.email` of null or undefined throws; an
   * e-mail some user already has is refused before the model is called;
   * otherwise the model's create. Distinct e-mails stay distinct.
   */
  method CreateUser(c: Collection, data: JVal, hash: string -> string, now: string) returns (r: Outcome<JVal>)
    requires c.name == Model.CollectionName && c.Valid()
    modifies c
    ensures c.Valid()
    ensures IsNullish(data) ==> r == Throw(TypeErrorText) && c.docs == old(c.docs)
    ensures var users := UsersOf(old(c.docs), old(c.available));
      !IsNullish(data) && Model.UserWithEmail(users, Get(data, "email")) != Null ==>
        r == Throw(EmailTakenMessage) && c.docs == old(c.docs)
    ensures var users := UsersOf(old(c.docs), old(c.available));
      var w := Model.NewUser(users, data, hash, now);
      !IsNullish(data) && Model.UserWithEmail(users, Get(data, "email")) == Null ==>
        if old(c.available) && w.Some? && Writable(w.value) then
          AddedOne(old(c.docs), c.docs, w.value) && r == Return(Model.Reply(NewKey(old(c.docs), c.docs), w.value))
        else r == Throw(Model.CreateFailedMessage) && c.docs == old(c.docs)
    ensures DistinctEmails(Listing(old(c.docs))) ==> DistinctEmails(Listing(c.docs))
  {
    if IsNullish(data) {
      return Throw(TypeErrorText);
    }
    var existing := Model.GetUserByEmail(c, Get(data, "email"));
    HolderFound(UsersOf(c.docs, c.available), Get(data, "email"));
    if Truthy(existing) {
      return Throw(EmailTakenMessage);
    }
    r := Model.CreateUser(c, data, hash, now);
    ghost var w := Model.NewUser(Listing(old(c.docs)), data, hash, now);
    if old(c.available) && w.Some? && Writable(w.value) && DistinctEmails(Listing(old(c.docs))) {
      CreateKeepsEmailsDistinct(old(c.docs), NewKey(old(c.docs), c.docs), data, hash, now);
    }
  }

  /**
   * Whether `updateUser` refuses the new e-mail: it is truthy, differs
   * from the user's current one, and the first user holding it has an `id`
   * other than the argument.
   */
  predicate EmailClash(users: seq<JVal>, current: JVal, id: string, email: JVal) {
    Truthy(email) && !StrictEq(email, Get(current, "email"))
    && Model.UserWithEmail(users, email) != Null && !StrictEq(Get(Model.UserWithEmail(users, email), "id"), Str(id))
  }

  /**
   * `updateUser`: a direct-key read first, which throws on a miss; reading
   * `updateData.email` of null or undefined throws; a clash throws; all
   * before anything is written. Otherwise the model's update, which lands
   * on the key itself.
   */
  method UpdateUser(c: Collection, id: string, data: JVal, hash: string -> string) returns (r: Outcome<JVal>)
    requires c.name == Model.CollectionName && c.Valid()
    modifies c
    ensures c.Valid()
    ensures var existing := ByKey(old(c.docs), old(c.available), id);
      if existing == Null then r == Throw(NotFoundMessage) && c.docs == old(c.docs)
      else if IsNullish(data) then r == Throw(TypeErrorText) && c.docs == old(c.docs)
      else if EmailClash(Listing(old(c.docs)), existing, id, Get(data, "email")) then
        r == Throw(EmailTakenByOtherMessage) && c.docs == old(c.docs)
      else if Model.Patch(data, hash).Throw? || !Updatable(Model.Patch(data, hash).value) then
        r == Throw(Model.UpdateFailedMessage) && c.docs == old(c.docs)
      else (c.docs == Merged(old(c.docs), PathOf(id), Model.Patch(data, hash).value)
        && r == Return(Model.Reply(PathOf(id), DataAt(old(c.docs), PathOf(id)) + Model.Patch(data, hash).value)))
    ensures DistinctEmails(Listing(old(c.docs))) && NoStoredIds(old(c.docs)) && EmailWrittenTruthy(data) ==>
      DistinctEmails(Listing(c.docs))
  {
    var refusal := UpdateRefusal(c, id, data);
    if refusal.Some? {
      return Throw(refusal.value);
    }
    r := Model.UpdateUser(c, id, data, hash);
    if Model.Patch(data, hash).Return? && Updatable(Model.Patch(data, hash).value) {
      assert c.docs == Merged(old(c.docs), PathOf(id), Model.Patch(data, hash).value);
      if DistinctEmails(Listing(old(c.docs))) && NoStoredIds(old(c.docs)) && EmailWrittenTruthy(data) {
        UpdateKeepsEmailsDistinct(old(c.docs), id, data, hash);
      }
    }
  }

  /**
   * The checks `updateUser` makes before it writes, in their order: the
   * direct-key read, the read of `updateData.email`, and the clash check.
   * They read the store and write nothing; the message is the exception.
   */
  method UpdateRefusal(c: Collection, id: string, data: JVal) returns (refusal: Option<string>)
    requires c.name == Model.CollectionName
    ensures var existing := ByKey(c.docs, c.available, id);
      refusal == if existing == Null then Some(NotFoundMessage)
        else if IsNullish(data) then Some(TypeErrorText)
        else if EmailClash(Listing(c.docs), existing, id, Get(data, "email")) then Some(EmailTakenByOtherMessage)
        else None
  {
    var existing := Model.GetUserById(c, id);
    if !Truthy(existing) {
      return Some(NotFoundMessage);
    }
    if IsNullish(data) {
      return Some(TypeErrorText);
    }
    var clash := EmailTaken(c, existing, id, Get(data, "email"));
    refusal := if clash then Some(EmailTakenByOtherMessage) else None;
  }

  /** The clash check: a truthy new e-mail whose first holder has an `id` other than the argument. */
  method EmailTaken(c: Collection, existing: JVal, id: string, email: JVal) returns (clash: bool)
    requires c.name == Model.CollectionName && c.available
    ensures clash == EmailClash(Listing(c.docs), existing, id, email)
  {
    clash := false;
    if Truthy(email) && !StrictEq(email, Get(existing, "email")) {
      var holder := Model.GetUserByEmail(c, email);
      HolderFound(Listing(c.docs), email);
      clash := Truthy(holder) && !StrictEq(Get(holder, "id"), Str(id));
    }
  }

  /** `deleteUser`: throws on a miss before deleting; otherwise the model's `{ deleted: true, data }`. */
  method DeleteUser(c: Collection, id: string) returns (r: Outcome<JVal>)
    requires c.name == Model.CollectionName && c.Valid()
    modifies c
    ensures c.Valid()
    ensures ByKey(old(c.docs), old(c.available), id) == Null ==> r == Throw(NotFoundMessage) && c.docs == old(c.docs)
    ensures ByKey(old(c.docs), old(c.available), id) != Null ==>
      r == Return(Model.DeletedReply(PathOf(id), DataAt(old(c.docs), PathOf(id)))) && c.docs == Removed(old(c.docs), PathOf(id))
  {
    var user := Model.GetUserById(c, id);
    if !Truthy(user) {
      return Throw(NotFoundMessage);
    }
    var deleted := Model.DeleteUser(c, id);
    r := Return(deleted);
  }

  // ---------------------------------------------------------------------
  // authenticateUser

  /** The fields of a user a successful login hands back. */
  const ProfileFields: set<string> := {"id", "fullName", "email", "dateOfBirth", "role", "accountEnabled", "phone", "address"}

  /** The profile a successful login hands back: eight fields of the user, and never the password. */
  function Profile(user: JVal): (r: JVal)
    ensures r.Obj? && "password" !in r.fields
    ensures r.fields.Keys == {"id", "fullName", "email", "dateOfBirth", "role", "accountEnabled", "phone", "address"}
    ensures forall k :: k in r.fields ==> r.fields[k] == Get(user, k)
  {
    Obj(map k | k in ProfileFields :: Get(user, k))
  }

  /**
   * What `authenticateUser` answers, given the listed users: the first user
   * holding the e-mail; a disabled account is refused before the password
   * is looked at; `bcrypt.compare` throws unless both the given and the
   * stored password are strings.
   */
  function Authenticated(users: seq<JVal>, email: JVal, password: JVal, verify: (string, string) -> bool): Outcome<JVal> {
    var user := Model.UserWithEmail(users, email);
    if !Truthy(user) then Throw(BadCredentialsMessage)
    else if StrictEq(Get(user, "accountEnabled"), Bool(false)) then Throw(DisabledMessage)
    else if !password.Str? || !Get(user, "password").Str? then Throw(Model.IllegalArgumentsText)
    else if !verify(password.s, Get(user, "password").s) then Throw(BadCredentialsMessage)
    else Return(Profile(user))
  }

  method AuthenticateUser(c: Collection, email: JVal, password: JVal, verify: (string, string) -> bool)
    returns (r: Outcome<JVal>)
    requires c.name == Model.CollectionName
    ensures r == Authenticated(UsersOf(c.docs, c.available), email, password, verify)
  {
    var user := Model.GetUserByEmail(c, email);
    if !Truthy(user) {
      return Throw(BadCredentialsMessage);
    }
    if StrictEq(Get(user, "accountEnabled"), Bool(false)) {
      return Throw(DisabledMessage);
    }
    var stored := Get(user, "password");
    if !password.Str? || !stored.Str? {
      return Throw(Model.IllegalArgumentsText);
    }
    var isValidPassword := verify(password.s, stored.s);
    if !isValidPassword {
      return Throw(BadCredentialsMessage);
    }
    r := Return(Profile(user));
  }

  /** A login succeeds exactly for an enabled holder of the e-mail whose stored password the given one verifies against. */
  lemma AuthenticatedIff(users: seq<JVal>, email: JVal, password: JVal, verify: (string, string) -> bool)
    requires AllObjects(users)
    ensures Authenticated(users, email, password, verify).Return? <==>
      (exists i :: 0 <= i < |users| && Model.EmailIs(users[i], email))
      && var user := Model.UserWithEmail(users, email);
      !StrictEq(Get(user, "accountEnabled"), Bool(false))
      && password.Str? && Get(user, "password").Str? && verify(password.s, Get(user, "password").s)
    ensures Authenticated(users, email, password, verify).Return? ==>
      Authenticated(users, email, password, verify).value == Profile(Model.UserWithEmail(users, email))
  {
    HolderFound(users, email);
  }

  /** An unknown e-mail and a wrong password get the same message, so a failed login does not tell which it was. */
  lemma UnknownAndWrongPasswordAlike(users: seq<JVal>, email: JVal, password: string, verify: (string, string) -> bool)
    requires AllObjects(users)
    requires (forall i :: 0 <= i < |users| ==> !Model.EmailIs(users[i], email))
      || (var user := Model.UserWithEmail(users, email);
          user != Null && !StrictEq(Get(user, "accountEnabled"), Bool(false)) && Get(user, "password").Str?
          && !verify(password, Get(user, "password").s))
    ensures Authenticated(users, email, Str(password), verify) == Throw(BadCredentialsMessage)
  {
    HolderFound(users, email);
  }

  /** A disabled account is refused whatever password is given, before it is compared. */
  lemma DisabledRefusedFirst(users: seq<JVal>, email: JVal, password: JVal, verify: (string, string) -> bool)
    requires AllObjects(users)
    requires Model.UserWithEmail(users, email) != Null && Get(Model.UserWithEmail(users, email), "accountEnabled") == Bool(false)
    ensures Authenticated(users, email, password, verify) == Throw(DisabledMessage)
  {
    HolderFound(users, email);
  }

  // ---------------------------------------------------------------------
  // E-mail uniqueness

  ghost predicate AllObjects(users: seq<JVal>) {
    forall i :: 0 <= i < |users| ==> users[i].Obj?
  }

  /** Over listed users, `find` gives null exactly when no user holds the e-mail, and otherwise a user that does. */
  lemma HolderFound(users: seq<JVal>, email: JVal)
    requires AllObjects(users)
    ensures Model.UserWithEmail(users, email) == Null <==> forall i :: 0 <= i < |users| ==> !Model.EmailIs(users[i], email)
    ensures Truthy(Model.UserWithEmail(users, email)) <==> Model.UserWithEmail(users, email) != Null
    ensures Model.UserWithEmail(users, email) != Null ==>
      Model.UserWithEmail(users, email) in users && Model.EmailIs(Model.UserWithEmail(users, email), email)
  {
    var f := FirstWhere(users, (u: JVal) => Model.EmailIs(u, email));
    if f.Some? {
      assert users[f.value].Obj?;
    }
  }

  /** No two listed users have strictly equal e-mails. */
  ghost predicate DistinctEmails(users: seq<JVal>) {
    forall i, j :: 0 <= i < j < |users| ==> !Model.EmailIs(users[j], Get(users[i], "email"))
  }

  lemma StrictEqSymmetric(a: JVal, b: JVal)
    ensures StrictEq(a, b) <==> StrictEq(b, a)
  {
  }

  /** Listing the documents after an insertion: the new record sits at the insertion slot, the others keep their order. */
  lemma ListingInserted(docs: seq<Doc>, d: Doc)
    ensures var p := Slot(docs, d.key);
      Listing(Inserted(docs, d)) == Listing(docs)[..p] + [Obj(WithId(d.key, d.data))] + Listing(docs)[p..]
  {
    var p := Slot(docs, d.key);
    assert Inserted(docs, d) == docs[..p] + [d] + docs[p..];
    ListingConcat(docs[..p] + [d], docs[p..]);
    ListingConcat(docs[..p], [d]);
    ListingSlices(docs, p);
  }

  /** Listing a concatenation lists each part in turn. */
  lemma ListingConcat(a: seq<Doc>, b: seq<Doc>)
    ensures Listing(a + b) == Listing(a) + Listing(b)
  {
    var l, r := Listing(a + b), Listing(a) + Listing(b);
    forall i | 0 <= i < |l| ensures l[i] == r[i] {
      if i < |a| {
        assert (a + b)[i] == a[i];
      } else {
        assert (a + b)[i] == b[i - |a|];
      }
    }
  }

  /** Listing a prefix or a suffix of the documents is that part of the listing. */
  lemma ListingSlices(docs: seq<Doc>, p: nat)
    requires p <= |docs|
    ensures Listing(docs[..p]) == Listing(docs)[..p] && Listing(docs[p..]) == Listing(docs)[p..]
  {
    var l, r := Listing(docs[..p]), Listing(docs)[..p];
    forall i | 0 <= i < p ensures l[i] == r[i] {
      assert docs[..p][i] == docs[i];
    }
    var l', r' := Listing(docs[p..]), Listing(docs)[p..];
    forall i | 0 <= i < |docs| - p ensures l'[i] == r'[i] {
      assert docs[p..][i] == docs[p + i];
    }
  }

  /** Adding a user `createUser` accepts keeps the listed e-mails distinct. */
  lemma CreateKeepsEmailsDistinct(docs: seq<Doc>, key: string, data: JVal, hash: string -> string, now: string)
    requires DistinctEmails(Listing(docs))
    requires Model.NewUser(Listing(docs), data, hash, now).Some?
    ensures DistinctEmails(Listing(Inserted(docs, Doc(key, Model.NewUser(Listing(docs), data, hash, now).value))))
  {
    var users := Listing(docs);
    var rec := Model.NewUser(users, data, hash, now).value;
    var e := Get(data, "email");
    ListingInserted(docs, Doc(key, rec));
    Model.NewUserKeepsPersonalFields(users, data, hash, now);
    StoredField(key, rec, "email");
    assert Model.UserWithEmail(users, e) == Null;
    HolderFound(users, e);
    InsertedEmailDistinct(users, Slot(docs, key), Obj(WithId(key, rec)));
  }

  /** A user whose e-mail nobody listed holds can be put anywhere in the list without a duplicate. */
  lemma InsertedEmailDistinct(users: seq<JVal>, p: nat, u: JVal)
    requires p <= |users| && DistinctEmails(users)
    requires forall i :: 0 <= i < |users| ==> !Model.EmailIs(users[i], Get(u, "email"))
    ensures DistinctEmails(users[..p] + [u] + users[p..])
  {
    var after := users[..p] + [u] + users[p..];
    forall i, j | 0 <= i < j < |after| ensures !Model.EmailIs(after[j], Get(after[i], "email")) {
      if i == p {
        assert after[j] == users[j - 1];
      } else if j == p {
        assert after[i] == users[i];
        StrictEqSymmetric(Get(u, "email"), Get(users[i], "email"));
        assert !Model.EmailIs(users[i], Get(u, "email"));
      } else {
        var i', j' := if i < p then i else i - 1, if j < p then j else j - 1;
        assert after[i] == users[i'] && after[j] == users[j'] && i' < j';
      }
    }
  }

  /** No stored document carries an `id` field of its own, so every listed `id` is the document's key. */
  ghost predicate NoStoredIds(docs: seq<Doc>) {
    forall i :: 0 <= i < |docs| ==> "id" !in docs[i].data
  }

  /** An e-mail the patch writes is truthy: for a falsy one `updateUser` skips the uniqueness check. */
  predicate EmailWrittenTruthy(data: JVal) {
    !data.Obj? || "email" !in data.fields || Truthy(data.fields["email"])
  }

  /** The e-mail the updated user ends up with: the patch's when it has one, the stored one otherwise. */
  lemma UpdatedEmail(docs: seq<Doc>, id: string, data: JVal, hash: string -> string, m: nat)
    requires m < |docs| && docs[m].key == id
    requires !IsNullish(data) && Model.Patch(data, hash).Return?
    ensures var e := Get(Obj(WithId(id, docs[m].data + Model.Patch(data, hash).value)), "email");
      if data.Obj? && "email" in data.fields then e == Get(data, "email")
      else e == Get(Obj(WithId(docs[m].key, docs[m].data)), "email")
  {
    if data.Obj? {
      Model.PatchMeaning(data, hash);
    }
  }

  /** Distinct e-mails stay distinct when one user's e-mail is replaced by one no other user holds. */
  lemma ReplacedEmailDistinct(users: seq<JVal>, after: seq<JVal>, m: nat)
    requires m < |users| == |after| && DistinctEmails(users)
    requires forall i :: 0 <= i < |users| && i != m ==> after[i] == users[i]
    requires forall i :: 0 <= i < |users| && i != m ==> !StrictEq(Get(users[i], "email"), Get(after[m], "email"))
    ensures DistinctEmails(after)
  {
    forall i, j | 0 <= i < j < |after| ensures !Model.EmailIs(after[j], Get(after[i], "email")) {
      if i == m {
        StrictEqSymmetric(Get(users[j], "email"), Get(after[m], "email"));
      } else if j != m {
        assert !Model.EmailIs(users[j], Get(users[i], "email"));
      }
    }
  }

  /** Under distinct e-mails no other user holds one strictly equal to a user's own. */
  lemma OwnEmailFree(users: seq<JVal>, m: nat, e: JVal)
    requires m < |users| && DistinctEmails(users)
    requires e == Get(users[m], "email") || StrictEq(e, Get(users[m], "email"))
    ensures forall i :: 0 <= i < |users| && i != m ==> !StrictEq(Get(users[i], "email"), e)
  {
    var own := Get(users[m], "email");
    forall i | 0 <= i < |users| && i != m ensures !StrictEq(Get(users[i], "email"), own) {
      if i < m {
        StrictEqSymmetric(own, Get(users[i], "email"));
      }
    }
  }

  /** The listing after a merge at the key of document `m`: that record changes, the others stay. */
  lemma MergedListing(docs: seq<Doc>, id: string, p: map<string, JVal>, m: nat)
    requires DistinctKeys(docs) && m < |docs| && docs[m].key == id
    ensures var users, after := Listing(docs), Listing(Merged(docs, id, p));
      |after| == |users|
      && after[m] == Obj(WithId(id, docs[m].data + p))
      && forall i :: 0 <= i < |docs| && i != m ==> after[i] == users[i]
  {
    var users, after := Listing(docs), Listing(Merged(docs, id, p));
    forall i | 0 <= i < |docs| && i != m
      ensures after[i] == users[i]
    {
      assert docs[i].key != id;
    }
  }

  /**
   * When the new e-mail differs from the user's own and passes the clash
   * check, and every listed `id` is a key, nobody holds it: the first holder
   * would have to be the user itself.
   */
  lemma NewEmailFree(docs: seq<Doc>, id: string, m: nat, e: JVal)
    requires DistinctKeys(docs) && forall i :: 0 <= i < |docs| ==> ValidKey(docs[i].key)
    requires m < |docs| && Addressable(id) && docs[m].key == PathOf(id) && NoStoredIds(docs)
    requires Truthy(e) && !StrictEq(e, Get(Listing(docs)[m], "email"))
    requires !EmailClash(Listing(docs), Listing(docs)[m], id, e)
    ensures forall i :: 0 <= i < |docs| ==> !StrictEq(Get(Listing(docs)[i], "email"), e)
  {
    var users := Listing(docs);
    HolderFound(users, e);
    HolderWithKeyIsUser(docs, id, m, e);
    StrictEqSymmetric(e, Get(users[m], "email"));
  }

  /**
   * With no stored `id` fields, a holder whose `id` is the argument `id` is
   * the user at the path `id` names: a stored key equal to `id` makes `id`
   * a plain key, which names itself.
   */
  lemma HolderWithKeyIsUser(docs: seq<Doc>, id: string, m: nat, e: JVal)
    requires DistinctKeys(docs) && forall i :: 0 <= i < |docs| ==> ValidKey(docs[i].key)
    requires m < |docs| && Addressable(id) && docs[m].key == PathOf(id) && NoStoredIds(docs)
    ensures var holder := Model.UserWithEmail(Listing(docs), e);
      holder != Null && StrictEq(Get(holder, "id"), Str(id)) ==> Model.EmailIs(Listing(docs)[m], e)
  {
    var users := Listing(docs);
    var holder := Model.UserWithEmail(users, e);
    if holder != Null && StrictEq(Get(holder, "id"), Str(id)) {
      var h := HolderAt(users, e);
      ListedIdIsKey(docs, h);
      assert StrictEq(Str(docs[h].key), Str(id));
      StoredKeyNamesItself(docs, id, m, h);
      assert users[m] == holder;
    }
  }

  /** Where the first holder of an e-mail sits in the list. */
  lemma HolderAt(users: seq<JVal>, e: JVal) returns (h: nat)
    requires Model.UserWithEmail(users, e) != Null
    ensures h < |users| && users[h] == Model.UserWithEmail(users, e) && Model.EmailIs(users[h], e)
  {
    var f := FirstWhere(users, (u: JVal) => Model.EmailIs(u, e));
    h := f.value;
  }

  /** With no stored `id` fields, the `id` of a listed user is its key. */
  lemma ListedIdIsKey(docs: seq<Doc>, h: nat)
    requires h < |docs| && NoStoredIds(docs)
    ensures Get(Listing(docs)[h], "id") == Str(docs[h].key)
  {
    assert "id" !in docs[h].data;
    assert Listing(docs)[h].fields == WithId(docs[h].key, docs[h].data);
  }

  /** A document whose key is `id` is the one at the path `id` names: a stored key names itself. */
  lemma StoredKeyNamesItself(docs: seq<Doc>, id: string, m: nat, h: nat)
    requires DistinctKeys(docs) && forall i :: 0 <= i < |docs| ==> ValidKey(docs[i].key)
    requires m < |docs| && Addressable(id) && docs[m].key == PathOf(id)
    requires h < |docs| && docs[h].key == id
    ensures h == m
  {
    assert ValidKey(docs[h].key);
  }

  /**
   * An update `updateUser` lets through keeps the listed e-mails distinct,
   * as long as no document stores its own `id` field (which the clash test
   * compares with the argument) and the patch writes no falsy e-mail.
   */
  lemma UpdateKeepsEmailsDistinct(docs: seq<Doc>, id: string, data: JVal, hash: string -> string)
    requires DistinctKeys(docs) && (forall i :: 0 <= i < |docs| ==> ValidKey(docs[i].key)) && Names(docs, id)
    requires DistinctEmails(Listing(docs)) && NoStoredIds(docs) && EmailWrittenTruthy(data)
    requires !IsNullish(data) && Model.Patch(data, hash).Return?
    requires !EmailClash(Listing(docs), Obj(WithId(PathOf(id), DataAt(docs, PathOf(id)))), id, Get(data, "email"))
    ensures DistinctEmails(Listing(Merged(docs, PathOf(id), Model.Patch(data, hash).value)))
  {
    var key := PathOf(id);
    var users := Listing(docs);
    var p := Model.Patch(data, hash).value;
    var after := Listing(Merged(docs, key, p));
    var m := KeyIndex(docs, key).value;
    var e := Get(data, "email");
    assert users[m] == Obj(WithId(key, DataAt(docs, key)));
    MergedListing(docs, key, p, m);
    UpdatedEmail(docs, key, data, hash, m);
    if data.Obj? && "email" in data.fields && !StrictEq(e, Get(users[m], "email")) {
      NewEmailFree(docs, id, m, e);
    } else {
      OwnEmailFree(users, m, Get(after[m], "email"));
    }
    ReplacedEmailDistinct(users, after, m);
  }

  /** A user added among users none of whom holds the e-mail is the one `find` settles on, wherever it lands. */
  lemma NewcomerFound(docs: seq<Doc>, d: Doc, email: JVal)
    requires forall i :: 0 <= i < |docs| ==> !Model.EmailIs(Listing(docs)[i], email)
    requires Model.EmailIs(Obj(WithId(d.key, d.data)), email)
    ensures Model.UserWithEmail(Listing(Inserted(docs, d)), email) == Obj(WithId(d.key, d.data))
  {
    var p := Slot(docs, d.key);
    var after := Listing(Inserted(docs, d));
    assert forall j :: 0 <= j < p ==> after[j] == Listing(docs)[j];
    assert after[p] == Obj(WithId(d.key, d.data));
    var f := FirstWhere(after, (u: JVal) => Model.EmailIs(u, email));
    assert f == Some(p);
  }

  /** A stored field other than `id` reads back from the listed record. */
  lemma StoredField(key: string, rec: map<string, JVal>, k: string)
    requires k in rec && k != "id"
    ensures Get(Obj(WithId(key, rec)), k) == rec[k]
  {
  }

  /** An enabled holder of the e-mail whose stored password verifies logs in and gets their profile. */
  lemma HolderLogsIn(users: seq<JVal>, email: JVal, password: string, verify: (string, string) -> bool, user: JVal)
    requires Model.UserWithEmail(users, email) == user && user.Obj?
    requires Get(user, "accountEnabled") == Bool(true) && Get(user, "password").Str?
    requires verify(password, Get(user, "password").s)
    ensures Authenticated(users, email, Str(password), verify) == Return(Profile(user))
  {
  }

  /** A user that just registered with a non-empty password logs in with it, given `verify` accepts what `hash` makes. */
  lemma RegisteredUserLogsIn(docs: seq<Doc>, key: string, data: JVal, hash: string -> string, now: string,
                             verify: (string, string) -> bool)
    requires Model.NewUser(Listing(docs), data, hash, now).Some?
    requires Get(data, "email").Str? && Model.NonEmptyPassword(data)
    requires forall p :: verify(p, hash(p))
    ensures var rec := Model.NewUser(Listing(docs), data, hash, now).value;
      Authenticated(Listing(Inserted(docs, Doc(key, rec))), Get(data, "email"), Get(data, "password"), verify)
        == Return(Profile(Obj(WithId(key, rec))))
  {
    var users := Listing(docs);
    var rec := Model.NewUser(users, data, hash, now).value;
    var e := Get(data, "email");
    var p := Get(data, "password").s;
    HolderFound(users, e);
    Model.NewUserPassword(users, data, hash, now);
    Model.NewUserDefaults(users, data, hash, now);
    Model.NewUserKeepsPersonalFields(users, data, hash, now);
    var user := Obj(WithId(key, rec));
    StoredField(key, rec, "email");
    StoredField(key, rec, "accountEnabled");
    StoredField(key, rec, "password");
    NewcomerFound(docs, Doc(key, rec), e);
    assert verify(p, hash(p));
    HolderLogsIn(Listing(Inserted(docs, Doc(key, rec))), e, p, verify, user);
  }
}
